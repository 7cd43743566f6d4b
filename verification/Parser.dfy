/** The recursive-descent parser of interface-compiler/src/parser.c, proved sound and complete for the grammar of
    mrpc interface definitions. The parser dies at the first error, which here is the answer None. */
module Parser {
  import opened Wrappers
  import opened Lexer

  // ---- interface definitions ----

  datatype ParamType = UInt32 | Int32 | UInt64 | Int64 | CharArray | WCharArray | Blob

  datatype Param = Param(isKey: bool, paramType: ParamType, name: string)

  datatype Method = Method(name: string, request: seq<Param>, response: seq<Param>)

  datatype Interface = Interface(name: string, methods: seq<Method>)

  datatype ParamsType = RequestParams | ResponseParams

  // ---- the grammar: what an interface definition is written as ----

  function TypeName(t: ParamType): string {
    match t
    case UInt32 => "uint32"
    case Int32 => "int32"
    case UInt64 => "uint64"
    case Int64 => "int64"
    case CharArray => "char_array"
    case WCharArray => "wchar_array"
    case Blob => "blob"
  }

  function ParamLexemes(p: Param): seq<Lexeme> {
    (if p.isKey then [Id("key")] else []) + [Id(TypeName(p.paramType)), Id(p.name)]
  }

  function ParamListLexemes(ps: seq<Param>): seq<Lexeme> {
    if ps == [] then [] else ParamLexemes(ps[0]) + ParamListLexemes(ps[1..])
  }

  function Title(kind: ParamsType): string {
    if kind.RequestParams? then "request" else "response"
  }

  function ParamsLexemes(kind: ParamsType, ps: seq<Param>): seq<Lexeme> {
    [Id(Title(kind)), Open] + ParamListLexemes(ps) + [Close]
  }

  function MethodLexemes(m: Method): seq<Lexeme> {
    [Id("method"), Id(m.name), Open] + ParamsLexemes(RequestParams, m.request)
    + ParamsLexemes(ResponseParams, m.response) + [Close]
  }

  function MethodListLexemes(ms: seq<Method>): seq<Lexeme> {
    if ms == [] then [] else MethodLexemes(ms[0]) + MethodListLexemes(ms[1..])
  }

  function InterfaceLexemes(i: Interface): seq<Lexeme> {
    [Id("interface"), Id(i.name), Open] + MethodListLexemes(i.methods) + [Close]
  }

  /** Only parameters of requests can be keys, and there is at least one method. */
  predicate NoKeys(ps: seq<Param>) {
    forall i :: 0 <= i < |ps| ==> !ps[i].isKey
  }

  predicate InGrammar(i: Interface) {
    i.methods != [] && forall k :: 0 <= k < |i.methods| ==> NoKeys(i.methods[k].response)
  }

  // ---- parsing, as a function on the lexemes still to be read, the current one included ----

  type Parsed<T> = Option<(T, Tokens)>

  function Size(ts: Tokens): nat {
    if ts.Cons? then 1 + Size(ts.tail) else 0
  }

  predicate Is(ts: Tokens, l: Lexeme) {
    ts.Cons? && ts.head == l
  }

  /** Goes past the current lexeme, which reads the next one. */
  function Past(ts: Tokens): (r: Option<Tokens>)
    requires ts.Cons?
    ensures r.Some? ==> Size(r.value) < Size(ts)
  {
    if ts.tail.Garbage? then None else Some(ts.tail)
  }

  function Expect(ts: Tokens, l: Lexeme): (r: Option<Tokens>)
    ensures r.Some? ==> Size(r.value) < Size(ts)
  {
    if Is(ts, l) then Past(ts) else None
  }

  function ParseName(ts: Tokens): (r: Parsed<string>)
    ensures r.Some? ==> Size(r.value.1) < Size(ts)
  {
    if ts.Cons? && ts.head.Id? then
      match Past(ts)
      case None => None
      case Some(rest) => Some((ts.head.name, rest))
    else None
  }

  function TypeOf(name: string): Option<ParamType> {
    if name == "uint32" then Some(UInt32)
    else if name == "int32" then Some(Int32)
    else if name == "uint64" then Some(UInt64)
    else if name == "int64" then Some(Int64)
    else if name == "char_array" then Some(CharArray)
    else if name == "wchar_array" then Some(WCharArray)
    else if name == "blob" then Some(Blob)
    else None
  }

  function ParseTyped(isKey: bool, ts: Tokens): (r: Parsed<Param>)
    ensures r.Some? ==> Size(r.value.1) < Size(ts)
  {
    match ParseName(ts)
    case None => None
    case Some((word, rest)) =>
      match TypeOf(word)
      case None => None
      case Some(t) =>
        match ParseName(rest)
        case None => None
        case Some((name, after)) => Some((Param(isKey, t, name), after))
  }

  function ParseParam(kind: ParamsType, ts: Tokens): (r: Parsed<Param>)
    ensures r.Some? ==> Size(r.value.1) < Size(ts)
  {
    if kind.RequestParams? && Is(ts, Id("key")) then
      match Past(ts)
      case None => None
      case Some(rest) => ParseTyped(true, rest)
    else ParseTyped(false, ts)
  }

  /** Parameters up to the closing brace, which stays the current lexeme. */
  function ParseParamList(kind: ParamsType, ts: Tokens): (r: Parsed<seq<Param>>)
    ensures r.Some? ==> Size(r.value.1) <= Size(ts)
    decreases Size(ts)
  {
    if Is(ts, Close) then Some(([], ts))
    else
      match ParseParam(kind, ts)
      case None => None
      case Some((p, rest)) =>
        match ParseParamList(kind, rest)
        case None => None
        case Some((ps, after)) => Some(([p] + ps, after))
  }

  function ParseParams(kind: ParamsType, ts: Tokens): (r: Parsed<seq<Param>>)
    ensures r.Some? ==> Size(r.value.1) < Size(ts)
  {
    match Expect(ts, Id(Title(kind)))
    case None => None
    case Some(t1) =>
      match Expect(t1, Open)
      case None => None
      case Some(t2) =>
        match ParseParamList(kind, t2)
        case None => None
        case Some((ps, t3)) =>
          match Expect(t3, Close)
          case None => None
          case Some(t4) => Some((ps, t4))
  }

  function ParseMethod(ts: Tokens): (r: Parsed<Method>)
    ensures r.Some? ==> Size(r.value.1) < Size(ts)
  {
    match Expect(ts, Id("method"))
    case None => None
    case Some(t1) =>
      match ParseName(t1)
      case None => None
      case Some((name, t2)) =>
        match Expect(t2, Open)
        case None => None
        case Some(t3) => ParseMethodBody(name, t3)
  }

  function ParseMethodBody(name: string, ts: Tokens): (r: Parsed<Method>)
    ensures r.Some? ==> Size(r.value.1) < Size(ts)
  {
    match ParseParams(RequestParams, ts)
    case None => None
    case Some((request, t1)) =>
      match ParseParams(ResponseParams, t1)
      case None => None
      case Some((response, t2)) =>
        match Expect(t2, Close)
        case None => None
        case Some(t3) => Some((Method(name, request, response), t3))
  }

  /** Further methods, as long as the current lexeme says so. */
  function ParseMoreMethods(ts: Tokens): (r: Parsed<seq<Method>>)
    ensures r.Some? ==> Size(r.value.1) <= Size(ts)
    decreases Size(ts)
  {
    if !Is(ts, Id("method")) then Some(([], ts))
    else
      match ParseMethod(ts)
      case None => None
      case Some((m, rest)) =>
        match ParseMoreMethods(rest)
        case None => None
        case Some((ms, after)) => Some(([m] + ms, after))
  }

  function ParseMethods(ts: Tokens): (r: Parsed<seq<Method>>)
    ensures r.Some? ==> Size(r.value.1) < Size(ts)
  {
    match ParseMethod(ts)
    case None => None
    case Some((m, rest)) =>
      match ParseMoreMethods(rest)
      case None => None
      case Some((ms, after)) => Some(([m] + ms, after))
  }

  /** A whole file: one interface and then its end. */
  function ParseFile(ts: Tokens): Option<Interface> {
    match Expect(ts, Id("interface"))
    case None => None
    case Some(t1) =>
      match ParseName(t1)
      case None => None
      case Some((name, t2)) =>
        match Expect(t2, Open)
        case None => None
        case Some(t3) =>
          match ParseMethods(t3)
          case None => None
          case Some((ms, t4)) =>
            match Expect(t4, Close)
            case None => None
            case Some(t5) => if t5.Eof? then Some(Interface(name, ms)) else None
  }

  // ---- soundness and completeness ----

  lemma {:induction false} CatCat(a: seq<Lexeme>, b: seq<Lexeme>, ts: Tokens)
    ensures Cat(a + b, ts) == Cat(a, Cat(b, ts))
  {
    if a == [] {
      assert a + b == b;
    } else {
      assert (a + b)[1..] == a[1..] + b;
      CatCat(a[1..], b, ts);
    }
  }

  lemma CatOne(l: Lexeme, ts: Tokens)
    ensures Cat([l], ts) == Cons(l, ts)
  {
    assert [l][1..] == [];
  }

  lemma CatTwo(a: Lexeme, b: Lexeme, ts: Tokens)
    ensures Cat([a, b], ts) == Cons(a, Cons(b, ts))
  {
    assert [a, b][1..] == [b];
    CatOne(b, ts);
  }

  lemma CatThree(a: Lexeme, b: Lexeme, c: Lexeme, ts: Tokens)
    ensures Cat([a, b, c], ts) == Cons(a, Cons(b, Cons(c, ts)))
  {
    assert [a, b, c][1..] == [b, c];
    CatTwo(b, c, ts);
  }

  lemma TypeOfName(t: ParamType)
    ensures TypeOf(TypeName(t)) == Some(t)
  {
    match t
    case UInt32 => case Int32 => case UInt64 => case Int64 => case CharArray => case WCharArray => case Blob =>
  }

  lemma TypeOfIs(word: string)
    ensures TypeOf(word).Some? ==> TypeName(TypeOf(word).value) == word
    ensures TypeOf("key") == None
  {
    assert |"key"| == 3;
  }

  lemma ParamCat(p: Param, ts: Tokens)
    ensures Cat(ParamLexemes(p), ts) ==
            if p.isKey then Cons(Id("key"), Cons(Id(TypeName(p.paramType)), Cons(Id(p.name), ts)))
            else Cons(Id(TypeName(p.paramType)), Cons(Id(p.name), ts))
  {
    if p.isKey {
      assert ParamLexemes(p) == [Id("key"), Id(TypeName(p.paramType)), Id(p.name)];
      CatThree(Id("key"), Id(TypeName(p.paramType)), Id(p.name), ts);
    } else {
      assert ParamLexemes(p) == [Id(TypeName(p.paramType)), Id(p.name)];
      CatTwo(Id(TypeName(p.paramType)), Id(p.name), ts);
    }
  }

  lemma ParamSound(kind: ParamsType, ts: Tokens)
    requires ParseParam(kind, ts).Some?
    ensures var (p, rest) := ParseParam(kind, ts).value;
            ts == Cat(ParamLexemes(p), rest) && !rest.Garbage? && (p.isKey ==> kind.RequestParams?)
  {
    var (p, rest) := ParseParam(kind, ts).value;
    ParamCat(p, rest);
    var t := if kind.RequestParams? && Is(ts, Id("key")) then Past(ts).value else ts;
    TypeOfIs(t.head.name);
  }

  lemma ParamComplete(kind: ParamsType, p: Param, rest: Tokens)
    requires !rest.Garbage? && (p.isKey ==> kind.RequestParams?)
    ensures ParseParam(kind, Cat(ParamLexemes(p), rest)) == Some((p, rest))
  {
    ParamCat(p, rest);
    TypeOfName(p.paramType);
    TypeOfIs(TypeName(p.paramType));
  }

  lemma {:induction false} ParamListSound(kind: ParamsType, ts: Tokens)
    requires ParseParamList(kind, ts).Some?
    ensures var (ps, rest) := ParseParamList(kind, ts).value;
            ts == Cat(ParamListLexemes(ps), rest) && Is(rest, Close) && (kind.ResponseParams? ==> NoKeys(ps))
    decreases Size(ts)
  {
    if !Is(ts, Close) {
      ParamSound(kind, ts);
      var (p, t1) := ParseParam(kind, ts).value;
      ParamListSound(kind, t1);
      var (ps, rest) := ParseParamList(kind, t1).value;
      assert ([p] + ps)[1..] == ps;
      CatCat(ParamLexemes(p), ParamListLexemes(ps), rest);
    }
  }

  lemma {:induction false} ParamListComplete(kind: ParamsType, ps: seq<Param>, rest: Tokens)
    requires Is(rest, Close) && (kind.ResponseParams? ==> NoKeys(ps))
    ensures ParseParamList(kind, Cat(ParamListLexemes(ps), rest)) == Some((ps, rest))
    decreases |ps|
  {
    if ps != [] {
      var t1 := Cat(ParamListLexemes(ps[1..]), rest);
      ParamListComplete(kind, ps[1..], rest);
      CatCat(ParamLexemes(ps[0]), ParamListLexemes(ps[1..]), rest);
      NotGarbage(ParamListLexemes(ps[1..]), rest);
      ParamComplete(kind, ps[0], t1);
      ParamCat(ps[0], t1);
      assert [ps[0]] + ps[1..] == ps;
    }
  }

  lemma NotGarbage(ls: seq<Lexeme>, rest: Tokens)
    requires !rest.Garbage?
    ensures !Cat(ls, rest).Garbage?
  {
  }

  lemma ParamsCat(kind: ParamsType, ps: seq<Param>, rest: Tokens)
    ensures Cat(ParamsLexemes(kind, ps), rest) ==
            Cons(Id(Title(kind)), Cons(Open, Cat(ParamListLexemes(ps), Cons(Close, rest))))
  {
    CatCat([Id(Title(kind)), Open] + ParamListLexemes(ps), [Close], rest);
    CatCat([Id(Title(kind)), Open], ParamListLexemes(ps), Cons(Close, rest));
    CatOne(Close, rest);
    CatTwo(Id(Title(kind)), Open, Cat(ParamListLexemes(ps), Cons(Close, rest)));
  }

  lemma ParamsSound(kind: ParamsType, ts: Tokens)
    requires ParseParams(kind, ts).Some?
    ensures var (ps, rest) := ParseParams(kind, ts).value;
            ts == Cat(ParamsLexemes(kind, ps), rest) && !rest.Garbage? && (kind.ResponseParams? ==> NoKeys(ps))
  {
    var (ps, rest) := ParseParams(kind, ts).value;
    ParamListSound(kind, ts.tail.tail);
    ParamsCat(kind, ps, rest);
  }

  lemma ParamsComplete(kind: ParamsType, ps: seq<Param>, rest: Tokens)
    requires !rest.Garbage? && (kind.ResponseParams? ==> NoKeys(ps))
    ensures ParseParams(kind, Cat(ParamsLexemes(kind, ps), rest)) == Some((ps, rest))
  {
    ParamsCat(kind, ps, rest);
    NotGarbage(ParamListLexemes(ps), Cons(Close, rest));
    ParamListComplete(kind, ps, Cons(Close, rest));
  }

  lemma MethodCat(m: Method, rest: Tokens)
    ensures Cat(MethodLexemes(m), rest) ==
            Cons(Id("method"), Cons(Id(m.name), Cons(Open,
              Cat(ParamsLexemes(RequestParams, m.request), Cat(ParamsLexemes(ResponseParams, m.response), Cons(Close,
                rest))))))
  {
    var a := [Id("method"), Id(m.name), Open];
    var b, c := ParamsLexemes(RequestParams, m.request), ParamsLexemes(ResponseParams, m.response);
    CatCat(a + b + c, [Close], rest);
    CatOne(Close, rest);
    CatCat(a + b, c, Cons(Close, rest));
    CatCat(a, b, Cat(c, Cons(Close, rest)));
    CatThree(Id("method"), Id(m.name), Open, Cat(b, Cat(c, Cons(Close, rest))));
  }

  lemma MethodSound(ts: Tokens)
    requires ParseMethod(ts).Some?
    ensures var (m, rest) := ParseMethod(ts).value;
            ts == Cat(MethodLexemes(m), rest) && !rest.Garbage? && NoKeys(m.response)
  {
    var (m, rest) := ParseMethod(ts).value;
    var t := ts.tail.tail.tail;
    ParamsSound(RequestParams, t);
    ParamsSound(ResponseParams, ParseParams(RequestParams, t).value.1);
    MethodCat(m, rest);
  }

  lemma MethodBodyComplete(m: Method, rest: Tokens)
    requires !rest.Garbage? && NoKeys(m.response)
    ensures var body := Cat(ParamsLexemes(RequestParams, m.request),
                            Cat(ParamsLexemes(ResponseParams, m.response), Cons(Close, rest)));
            ParseMethodBody(m.name, body) == Some((m, rest)) && !body.Garbage?
  {
    var t1 := Cat(ParamsLexemes(ResponseParams, m.response), Cons(Close, rest));
    NotGarbage(ParamsLexemes(ResponseParams, m.response), Cons(Close, rest));
    NotGarbage(ParamsLexemes(RequestParams, m.request), t1);
    ParamsComplete(RequestParams, m.request, t1);
    ParamsComplete(ResponseParams, m.response, Cons(Close, rest));
  }

  lemma MethodComplete(m: Method, rest: Tokens)
    requires !rest.Garbage? && NoKeys(m.response)
    ensures ParseMethod(Cat(MethodLexemes(m), rest)) == Some((m, rest))
  {
    MethodCat(m, rest);
    MethodBodyComplete(m, rest);
  }

  predicate AllNoKeys(ms: seq<Method>) {
    forall k :: 0 <= k < |ms| ==> NoKeys(ms[k].response)
  }

  lemma {:induction false} MoreMethodsSound(ts: Tokens)
    requires ParseMoreMethods(ts).Some? && !ts.Garbage?
    ensures var (ms, rest) := ParseMoreMethods(ts).value;
            ts == Cat(MethodListLexemes(ms), rest) && !rest.Garbage? && AllNoKeys(ms)
    decreases Size(ts)
  {
    if Is(ts, Id("method")) {
      MethodSound(ts);
      var (m, t1) := ParseMethod(ts).value;
      MoreMethodsSound(t1);
      var (ms, rest) := ParseMoreMethods(t1).value;
      assert ([m] + ms)[1..] == ms;
      CatCat(MethodLexemes(m), MethodListLexemes(ms), rest);
    }
  }

  lemma {:induction false} MoreMethodsComplete(ms: seq<Method>, rest: Tokens)
    requires !rest.Garbage? && !Is(rest, Id("method")) && AllNoKeys(ms)
    ensures ParseMoreMethods(Cat(MethodListLexemes(ms), rest)) == Some((ms, rest))
    decreases |ms|
  {
    if ms != [] {
      var t1 := Cat(MethodListLexemes(ms[1..]), rest);
      MoreMethodsComplete(ms[1..], rest);
      CatCat(MethodLexemes(ms[0]), MethodListLexemes(ms[1..]), rest);
      NotGarbage(MethodListLexemes(ms[1..]), rest);
      MethodComplete(ms[0], t1);
      MethodCat(ms[0], t1);
      assert [ms[0]] + ms[1..] == ms;
    }
  }

  lemma MethodsSound(ts: Tokens)
    requires ParseMethods(ts).Some?
    ensures var (ms, rest) := ParseMethods(ts).value;
            ts == Cat(MethodListLexemes(ms), rest) && !rest.Garbage? && AllNoKeys(ms) && ms != []
  {
    MethodSound(ts);
    var (m, t1) := ParseMethod(ts).value;
    MoreMethodsSound(t1);
    var (ms, rest) := ParseMoreMethods(t1).value;
    assert ([m] + ms)[1..] == ms;
    CatCat(MethodLexemes(m), MethodListLexemes(ms), rest);
  }

  lemma MethodsComplete(ms: seq<Method>, rest: Tokens)
    requires !rest.Garbage? && !Is(rest, Id("method")) && AllNoKeys(ms) && ms != []
    ensures ParseMethods(Cat(MethodListLexemes(ms), rest)) == Some((ms, rest))
  {
    var t1 := Cat(MethodListLexemes(ms[1..]), rest);
    MoreMethodsComplete(ms[1..], rest);
    CatCat(MethodLexemes(ms[0]), MethodListLexemes(ms[1..]), rest);
    NotGarbage(MethodListLexemes(ms[1..]), rest);
    MethodComplete(ms[0], t1);
    assert [ms[0]] + ms[1..] == ms;
  }

  lemma InterfaceCat(i: Interface, rest: Tokens)
    ensures Cat(InterfaceLexemes(i), rest) ==
            Cons(Id("interface"), Cons(Id(i.name), Cons(Open, Cat(MethodListLexemes(i.methods), Cons(Close, rest)))))
  {
    var a, b := [Id("interface"), Id(i.name), Open], MethodListLexemes(i.methods);
    CatCat(a + b, [Close], rest);
    CatOne(Close, rest);
    CatCat(a, b, Cons(Close, rest));
    CatThree(Id("interface"), Id(i.name), Open, Cat(b, Cons(Close, rest)));
  }

  lemma FileSound(ts: Tokens)
    requires ParseFile(ts).Some?
    ensures InGrammar(ParseFile(ts).value) && ts == Cat(InterfaceLexemes(ParseFile(ts).value), Eof)
  {
    var i := ParseFile(ts).value;
    MethodsSound(ts.tail.tail.tail);
    assert AllNoKeys(i.methods);
    InterfaceCat(i, Eof);
  }

  lemma FileComplete(i: Interface)
    requires InGrammar(i)
    ensures ParseFile(Cat(InterfaceLexemes(i), Eof)) == Some(i)
  {
    InterfaceCat(i, Eof);
    assert AllNoKeys(i.methods);
    NotGarbage(MethodListLexemes(i.methods), Cons(Close, Eof));
    MethodsComplete(i.methods, Cons(Close, Eof));
  }

  /** A file is accepted with an interface exactly when the grammar derives its lexemes from that interface. */
  lemma ParsesExactlyTheGrammar(s: string, i: Interface)
    ensures ParseFile(View(s)) == Some(i) <==> InGrammar(i) && View(s) == Cat(InterfaceLexemes(i), Eof)
  {
    if ParseFile(View(s)) == Some(i) {
      FileSound(View(s));
    }
    if InGrammar(i) {
      FileComplete(i);
    }
  }

  ghost predicate IsLayoutOf(s: string, ls: seq<Lexeme>) {
    exists gaps :: Legal(ls, gaps) && Render(ls, gaps) == s
  }

  /** Layout does not matter: a file is accepted with an interface exactly when it is the interface's lexemes, laid
      out with any white space and comments. */
  lemma AcceptsExactlyLayouts(s: string, i: Interface)
    ensures ParseFile(View(s)) == Some(i) <==> InGrammar(i) && IsLayoutOf(s, InterfaceLexemes(i))
  {
    ParsesExactlyTheGrammar(s, i);
    if View(s) == Cat(InterfaceLexemes(i), Eof) {
      var gaps := ReadIsRendered(s, InterfaceLexemes(i));
    }
    if IsLayoutOf(s, InterfaceLexemes(i)) {
      var gaps :| Legal(InterfaceLexemes(i), gaps) && Render(InterfaceLexemes(i), gaps) == s;
      RenderedIsRead(InterfaceLexemes(i), gaps);
    }
  }

  // ---- the documented identifiers ----

  /** A file that the documentation allows for an interface: its lexemes, with documented identifiers of any length,
      laid out in any way. The words of the grammar are documented identifiers too. */
  ghost predicate IsDocumentedLayout(s: string, ls: seq<Lexeme>) {
    AllDocumented(ls) && exists gaps :: Spaced(ls, gaps) && Render(ls, gaps) == s
  }

  /** Of the files the documentation allows, exactly those are accepted whose identifiers have at most 99
      characters; the others are refused altogether. */
  lemma DocumentedIsAccepted(s: string, i: Interface)
    requires InGrammar(i) && IsDocumentedLayout(s, InterfaceLexemes(i))
    ensures ParseFile(View(s)) == if AllShort(InterfaceLexemes(i)) then Some(i) else None
  {
    var ls := InterfaceLexemes(i);
    var gaps :| Spaced(ls, gaps) && Render(ls, gaps) == s;
    DocumentedEnds(ls, gaps);
    if AllShort(ls) {
      AcceptsExactlyLayouts(s, i);
    } else if ParseFile(View(s)).Some? {
      FileSound(View(s));
      CatEnds(InterfaceLexemes(ParseFile(View(s)).value));
    }
  }

  /** Of the files that are accepted, exactly those are allowed by the documentation whose identifiers are
      documented ones. */
  lemma AcceptedIsDocumented(s: string, i: Interface)
    requires ParseFile(View(s)) == Some(i)
    ensures IsDocumentedLayout(s, InterfaceLexemes(i)) <==> AllDocumented(InterfaceLexemes(i))
  {
    AcceptsExactlyLayouts(s, i);
    var gaps :| Legal(InterfaceLexemes(i), gaps) && Render(InterfaceLexemes(i), gaps) == s;
    assert Spaced(InterfaceLexemes(i), gaps);
  }

  /** interface <name> { method m { request { } response { } } } */
  function Simple(name: string): Interface {
    Interface(name, [Method("m", [], [])])
  }

  function SimpleLexemes(name: string): seq<Lexeme> {
    [Id("interface"), Id(name), Open, Id("method"), Id("m"), Open, Id("request"), Open, Close,
     Id("response"), Open, Close, Close, Close]
  }

  lemma SimpleIs(name: string)
    ensures InterfaceLexemes(Simple(name)) == SimpleLexemes(name) && InGrammar(Simple(name))
  {
    var m := Method("m", [], []);
    assert [m][1..] == [];
    assert MethodListLexemes([m]) == MethodLexemes(m) + [];
  }

  predicate Word(w: string) {
    DocumentedId(w) && |w| < MAX_LEXEME_SIZE && IsId(w)
  }

  lemma GrammarWords()
    ensures Word("interface") && Word("method") && Word("m") && Word("request") && Word("response")
  {
  }

  lemma SimpleIds(name: string, l: Lexeme)
    requires l in SimpleLexemes(name) && l.Id?
    ensures l.name == name || Word(l.name)
  {
    assert l.name == name || l.name in ["interface", "method", "m", "request", "response"];
    GrammarWords();
  }

  lemma SimpleWords(name: string)
    ensures AllDocumented(SimpleLexemes(name)) <==> DocumentedId(name)
    ensures AllShort(SimpleLexemes(name)) <==> |name| < MAX_LEXEME_SIZE
    ensures AllIds(SimpleLexemes(name)) <==> IsId(name)
  {
    assert SimpleLexemes(name)[1] == Id(name);
    forall l | l in SimpleLexemes(name) && l.Id?
      ensures l.name == name || Word(l.name)
    {
      SimpleIds(name, l);
    }
  }

  /** An upper-case name is accepted, although it is not a documented one. */
  lemma UpperCaseIsAccepted() returns (s: string)
    ensures ParseFile(View(s)) == Some(Simple("A")) && !IsDocumentedLayout(s, InterfaceLexemes(Simple("A")))
  {
    var ls := SimpleLexemes("A");
    SimpleIs("A");
    SimpleWords("A");
    assert "A"[0] == 'A' && |"A"| == 1;
    var gaps := SpreadOut(ls);
    s := Render(ls, gaps);
    assert Legal(ls, gaps);
    AcceptsExactlyLayouts(s, Simple("A"));
  }

  /** A documented name of 100 characters is refused. */
  lemma LongNameIsRefused() returns (s: string, name: string)
    ensures |name| == 100 && IsDocumentedLayout(s, InterfaceLexemes(Simple(name))) && ParseFile(View(s)) == None
  {
    name := seq(100, _ => 'a');
    var ls := SimpleLexemes(name);
    SimpleIs(name);
    SimpleWords(name);
    var gaps := SpreadOut(ls);
    s := Render(ls, gaps);
    DocumentedIsAccepted(s, Simple(name));
  }

  // ---- writing an interface ----

  ghost predicate NamedParams(ps: seq<Param>) {
    forall p :: p in ps ==> Name(p.name)
  }

  /** All the names in an interface are names for the lexer. */
  ghost predicate Named(i: Interface) {
    Name(i.name) && forall m :: m in i.methods ==> NamedMethod(m)
  }

  ghost predicate NamedMethod(m: Method) {
    Name(m.name) && NamedParams(m.request) && NamedParams(m.response)
  }

  /** Tabs, line breaks and any other white space. */
  ghost predicate WhiteGaps(gaps: seq<string>) {
    forall g :: g in gaps ==> g != [] && forall i :: 0 <= i < |g| ==> White(g[i])
  }

  /** Every interface of the grammar, written with any white space between its words, is accepted as what it says, if
      and only if its names are names for the lexer. */
  lemma WrittenIsAccepted(i: Interface, gaps: seq<string>)
    requires InGrammar(i) && |gaps| == |InterfaceLexemes(i)| + 1 && WhiteGaps(gaps)
    ensures ParseFile(View(Render(InterfaceLexemes(i), gaps))) == Some(i) <==> Named(i)
  {
    var ls := InterfaceLexemes(i);
    WhiteIsSpaced(ls, gaps);
    NamedInterface(i);
    AcceptsExactlyLayouts(Render(ls, gaps), i);
    RenderedIsLayout(ls, gaps);
  }

  lemma RenderedIsLayout(ls: seq<Lexeme>, gaps: seq<string>)
    requires Spaced(ls, gaps)
    ensures IsLayoutOf(Render(ls, gaps), ls) <==> AllIds(ls)
  {
    if AllIds(ls) {
      assert Legal(ls, gaps);
    }
  }

  lemma WhiteIsSpaced(ls: seq<Lexeme>, gaps: seq<string>)
    requires |gaps| == |ls| + 1 && WhiteGaps(gaps)
    ensures Spaced(ls, gaps)
  {
    forall k | 0 <= k < |gaps|
      ensures IsGap(gaps[k], false) && SkipLayout(gaps[k], false) == [] && gaps[k] != []
    {
      GapsAre(gaps[k]);
    }
  }

  lemma AllIdsCat(a: seq<Lexeme>, b: seq<Lexeme>)
    ensures AllIds(a + b) <==> AllIds(a) && AllIds(b)
  {
    assert forall l :: l in a + b <==> l in a || l in b;
  }

  lemma AllIdsWord(w: string)
    ensures AllIds([Id(w)]) <==> Name(w)
    ensures AllIds([Open]) && AllIds([Close])
  {
    assert Id(w) in [Id(w)];
  }

  lemma WordsAreNames(t: ParamType, kind: ParamsType)
    ensures Name("interface") && Name("method") && Name("key") && Name(TypeName(t)) && Name(Title(kind))
  {
  }

  lemma NamedParam(p: Param)
    ensures AllIds(ParamLexemes(p)) <==> Name(p.name)
  {
    WordsAreNames(p.paramType, RequestParams);
    AllIdsWord("key");
    AllIdsWord(TypeName(p.paramType));
    AllIdsWord(p.name);
    AllIdsCat([Id(TypeName(p.paramType))], [Id(p.name)]);
    assert [Id(TypeName(p.paramType)), Id(p.name)] == [Id(TypeName(p.paramType))] + [Id(p.name)];
    AllIdsCat(if p.isKey then [Id("key")] else [], [Id(TypeName(p.paramType)), Id(p.name)]);
  }

  lemma {:induction false} NamedParamList(ps: seq<Param>)
    ensures AllIds(ParamListLexemes(ps)) <==> NamedParams(ps)
  {
    if ps != [] {
      NamedParam(ps[0]);
      NamedParamList(ps[1..]);
      AllIdsCat(ParamLexemes(ps[0]), ParamListLexemes(ps[1..]));
      assert forall p :: p in ps <==> p == ps[0] || p in ps[1..];
    }
  }

  lemma NamedBlock(kind: ParamsType, ps: seq<Param>)
    ensures AllIds(ParamsLexemes(kind, ps)) <==> NamedParams(ps)
  {
    WordsAreNames(Blob, kind);
    AllIdsWord(Title(kind));
    NamedParamList(ps);
    assert [Id(Title(kind)), Open] == [Id(Title(kind))] + [Open];
    AllIdsCat([Id(Title(kind))], [Open]);
    AllIdsCat([Id(Title(kind)), Open], ParamListLexemes(ps));
    AllIdsCat([Id(Title(kind)), Open] + ParamListLexemes(ps), [Close]);
  }

  lemma NamedHead(word: string, name: string)
    requires Name(word)
    ensures AllIds([Id(word), Id(name), Open]) <==> Name(name)
  {
    AllIdsWord(word);
    AllIdsWord(name);
    assert [Id(word), Id(name), Open] == [Id(word)] + [Id(name)] + [Open];
    AllIdsCat([Id(word)], [Id(name)]);
    AllIdsCat([Id(word)] + [Id(name)], [Open]);
  }

  lemma NamedMethodIs(m: Method)
    ensures AllIds(MethodLexemes(m)) <==> NamedMethod(m)
  {
    WordsAreNames(Blob, RequestParams);
    var a, b, c := [Id("method"), Id(m.name), Open], ParamsLexemes(RequestParams, m.request),
      ParamsLexemes(ResponseParams, m.response);
    NamedHead("method", m.name);
    NamedBlock(RequestParams, m.request);
    NamedBlock(ResponseParams, m.response);
    AllIdsWord("");
    AllIdsCat(a, b);
    AllIdsCat(a + b, c);
    AllIdsCat(a + b + c, [Close]);
  }

  lemma {:induction false} NamedMethods(ms: seq<Method>)
    ensures AllIds(MethodListLexemes(ms)) <==> forall m :: m in ms ==> NamedMethod(m)
  {
    if ms != [] {
      NamedMethodIs(ms[0]);
      NamedMethods(ms[1..]);
      AllIdsCat(MethodLexemes(ms[0]), MethodListLexemes(ms[1..]));
      assert forall m :: m in ms <==> m == ms[0] || m in ms[1..];
    }
  }

  lemma NamedInterface(i: Interface)
    ensures AllIds(InterfaceLexemes(i)) <==> Named(i)
  {
    WordsAreNames(Blob, RequestParams);
    NamedHead("interface", i.name);
    NamedMethods(i.methods);
    AllIdsWord("");
    AllIdsCat([Id("interface"), Id(i.name), Open], MethodListLexemes(i.methods));
    AllIdsCat([Id("interface"), Id(i.name), Open] + MethodListLexemes(i.methods), [Close]);
  }

  // ---- what the words mean ----

  const NUMBERS := [Param(true, UInt32, "a"), Param(false, Int32, "b"), Param(true, UInt64, "c"),
                    Param(false, Int64, "d")]

  const ARRAYS := [Param(false, CharArray, "e"), Param(false, WCharArray, "f"), Param(false, Blob, "g")]

  /** An interface that uses every word of the grammar. */
  const SAMPLE := Interface("store", [Method("put", NUMBERS + ARRAYS, []), Method("get", [], ARRAYS)])

  function NumberLexemes(): seq<Lexeme> {
    [Id("key"), Id("uint32"), Id("a"), Id("int32"), Id("b"), Id("key"), Id("uint64"), Id("c"), Id("int64"), Id("d")]
  }

  function ArrayLexemes(): seq<Lexeme> {
    [Id("char_array"), Id("e"), Id("wchar_array"), Id("f"), Id("blob"), Id("g")]
  }

  function PutLexemes(): seq<Lexeme> {
    [Id("method"), Id("put"), Open, Id("request"), Open] + NumberLexemes() + ArrayLexemes() +
    [Close, Id("response"), Open, Close, Close]
  }

  function GetLexemes(): seq<Lexeme> {
    [Id("method"), Id("get"), Open, Id("request"), Open, Close, Id("response"), Open] + ArrayLexemes() + [Close, Close]
  }

  /** How it is written. */
  function SampleLexemes(): seq<Lexeme> {
    [Id("interface"), Id("store"), Open] + PutLexemes() + GetLexemes() + [Close]
  }

  /** Written with any white space between its words, the sample is accepted as what it says. */
  lemma SampleIsAccepted(gaps: seq<string>)
    requires |gaps| == |SampleLexemes()| + 1 && WhiteGaps(gaps)
    ensures ParseFile(View(Render(SampleLexemes(), gaps))) == Some(SAMPLE)
  {
    SampleIs();
    SampleIsNamed();
    WrittenIsAccepted(SAMPLE, gaps);
  }

  /** For instance with a line break and a tab everywhere. */
  lemma TabbedIsAccepted() returns (gaps: seq<string>)
    ensures |gaps| == |SampleLexemes()| + 1 && forall g :: g in gaps ==> g == "\r\n\t"
    ensures ParseFile(View(Render(SampleLexemes(), gaps))) == Some(SAMPLE)
  {
    gaps := seq(|SampleLexemes()| + 1, _ => "\r\n\t");
    SampleIsAccepted(gaps);
  }

  lemma ParamListFrom(ps: seq<Param>, k: nat)
    requires k <= |ps|
    ensures ParamListLexemes(ps[k..]) == if k == |ps| then [] else ParamLexemes(ps[k]) + ParamListLexemes(ps[k + 1..])
  {
    if k < |ps| {
      assert ps[k..][1..] == ps[k + 1..];
    }
  }

  lemma NumbersAre()
    ensures ParamListLexemes(NUMBERS) == NumberLexemes()
  {
    assert NUMBERS[0..] == NUMBERS;
    ParamListFrom(NUMBERS, 0);
    ParamListFrom(NUMBERS, 1);
    ParamListFrom(NUMBERS, 2);
    ParamListFrom(NUMBERS, 3);
    ParamListFrom(NUMBERS, 4);
  }

  lemma ArraysAre()
    ensures ParamListLexemes(ARRAYS) == ArrayLexemes()
  {
    assert ARRAYS[0..] == ARRAYS;
    ParamListFrom(ARRAYS, 0);
    ParamListFrom(ARRAYS, 1);
    ParamListFrom(ARRAYS, 2);
    ParamListFrom(ARRAYS, 3);
  }

  lemma {:induction false} ParamListCat(a: seq<Param>, b: seq<Param>)
    ensures ParamListLexemes(a + b) == ParamListLexemes(a) + ParamListLexemes(b)
  {
    if a == [] {
      assert a + b == b;
    } else {
      assert (a + b)[1..] == a[1..] + b;
      ParamListCat(a[1..], b);
    }
  }

  lemma MethodWords(name: string, ps: seq<Param>, qs: seq<Param>)
    ensures MethodLexemes(Method(name, ps, qs)) ==
            [Id("method"), Id(name), Open, Id("request"), Open] + ParamListLexemes(ps) + [Close, Id("response"), Open]
            + ParamListLexemes(qs) + [Close, Close]
  {
  }

  lemma SampleIs()
    ensures InterfaceLexemes(SAMPLE) == SampleLexemes() && InGrammar(SAMPLE)
  {
    var put, get := Method("put", NUMBERS + ARRAYS, []), Method("get", [], ARRAYS);
    NumbersAre();
    ArraysAre();
    ParamListCat(NUMBERS, ARRAYS);
    MethodWords("put", NUMBERS + ARRAYS, []);
    MethodWords("get", [], ARRAYS);
    PutGet(put, get);
  }

  lemma PutGet(put: Method, get: Method)
    requires MethodLexemes(put) ==
             [Id("method"), Id("put"), Open, Id("request"), Open] + (NumberLexemes() + ArrayLexemes())
             + [Close, Id("response"), Open] + [] + [Close, Close]
    requires MethodLexemes(get) ==
             [Id("method"), Id("get"), Open, Id("request"), Open] + [] + [Close, Id("response"), Open] + ArrayLexemes()
             + [Close, Close]
    ensures InterfaceLexemes(Interface("store", [put, get])) == SampleLexemes()
  {
    assert MethodLexemes(put) == PutLexemes();
    assert MethodLexemes(get) == GetLexemes();
    TwoMethods(put, get);
  }

  lemma TwoMethods(a: Method, b: Method)
    ensures MethodListLexemes([a, b]) == MethodLexemes(a) + MethodLexemes(b)
  {
    assert [a, b][1..] == [b] && [b][1..] == [];
    assert MethodListLexemes([b]) == MethodLexemes(b) + [] == MethodLexemes(b);
  }

  lemma SampleIsNamed()
    ensures Named(SAMPLE)
  {
  }

  // ---- the parser ----

  ghost predicate Ready(ctx: Context)
    reads ctx
  {
    ctx.Valid() && !ctx.lexemeType.LexemeStart? && (ctx.lexemeType.LexemeStop? ==> ctx.Rest() == Eof)
  }

  /** The current lexeme and what is still to be read. */
  ghost function Ahead(ctx: Context): Tokens
    requires Ready(ctx)
    reads ctx
  {
    match ctx.lexemeType
    case LexemeStop => Eof
    case LexemeId => Cons(Id(ctx.lexeme), ctx.Rest())
    case LexemeOpenBrace => Cons(Open, ctx.Rest())
    case LexemeCloseBrace => Cons(Close, ctx.Rest())
  }

  /** The outcome of a piece of parsing agrees with the function for it. */
  ghost predicate Agrees<T>(ctx: Context, r: Option<T>, spec: Parsed<T>)
    reads ctx
  {
    if spec.Some? then r == Some(spec.value.0) && Ready(ctx) && Ahead(ctx) == spec.value.1 else r.None?
  }

  predicate TestId(ctx: Context, s: string)
    reads ctx
  {
    ctx.lexemeType == LexemeId && ctx.lexeme == s
  }

  method Match(ctx: Context, lexemeType: LexemeType) returns (ok: bool)
    requires ctx.Valid()
    modifies ctx
    ensures ok <==> old(ctx.lexemeType) == lexemeType && !old(ctx.Rest()).Garbage?
    ensures ok ==> Ready(ctx) && Ahead(ctx) == old(ctx.Rest())
  {
    ok := false;
    if ctx.lexemeType == lexemeType {
      ok := ctx.ReadNextLexeme();
    }
  }

  method MatchBrace(ctx: Context, l: Lexeme) returns (ok: bool)
    requires Ready(ctx) && !l.Id?
    modifies ctx
    ensures ok <==> Expect(old(Ahead(ctx)), l).Some?
    ensures ok ==> Ready(ctx) && Ahead(ctx) == Expect(old(Ahead(ctx)), l).value
  {
    ok := Match(ctx, if l.Open? then LexemeOpenBrace else LexemeCloseBrace);
  }

  method MatchId(ctx: Context, s: string) returns (ok: bool)
    requires Ready(ctx)
    modifies ctx
    ensures ok <==> Expect(old(Ahead(ctx)), Id(s)).Some?
    ensures ok ==> Ready(ctx) && Ahead(ctx) == Expect(old(Ahead(ctx)), Id(s)).value
  {
    ok := false;
    if TestId(ctx, s) {
      ok := Match(ctx, LexemeId);
    }
  }

  /** Copies the current lexeme and goes past it, provided it is an identifier. */
  method MatchName(ctx: Context) returns (name: Option<string>)
    requires Ready(ctx)
    modifies ctx
    ensures Agrees(ctx, name, ParseName(old(Ahead(ctx))))
  {
    var copy := ctx.lexeme;
    var ok := Match(ctx, LexemeId);
    name := if ok then Some(copy) else None;
  }

  method MatchParam(ctx: Context, kind: ParamsType) returns (param: Option<Param>)
    requires Ready(ctx)
    modifies ctx
    ensures Agrees(ctx, param, ParseParam(kind, old(Ahead(ctx))))
  {
    var isKey := false;
    if kind.RequestParams? && TestId(ctx, "key") {
      isKey := true;
      var ok := Match(ctx, LexemeId);
      if !ok {
        return None;
      }
    }
    param := MatchTyped(ctx, isKey);
  }

  method MatchTyped(ctx: Context, isKey: bool) returns (param: Option<Param>)
    requires Ready(ctx)
    modifies ctx
    ensures Agrees(ctx, param, ParseTyped(isKey, old(Ahead(ctx))))
  {
    var paramType;
    if TestId(ctx, "uint32") {
      paramType := UInt32;
    } else if TestId(ctx, "int32") {
      paramType := Int32;
    } else if TestId(ctx, "uint64") {
      paramType := UInt64;
    } else if TestId(ctx, "int64") {
      paramType := Int64;
    } else if TestId(ctx, "char_array") {
      paramType := CharArray;
    } else if TestId(ctx, "wchar_array") {
      paramType := WCharArray;
    } else if TestId(ctx, "blob") {
      paramType := Blob;
    } else {
      return None;
    }
    var ok := Match(ctx, LexemeId);
    if !ok {
      return None;
    }
    var name := MatchName(ctx);
    if name.None? {
      return None;
    }
    param := Some(Param(isKey, paramType, name.value));
  }

  function Prepend<T>(xs: seq<T>, r: Parsed<seq<T>>): Parsed<seq<T>> {
    match r
    case None => None
    case Some((ys, rest)) => Some((xs + ys, rest))
  }

  lemma PrependOne<T>(xs: seq<T>, x: T, r: Parsed<seq<T>>)
    ensures Prepend(xs + [x], r) == Prepend(xs, Prepend([x], r))
  {
    if r.Some? {
      assert xs + [x] + r.value.0 == xs + ([x] + r.value.0);
    }
  }

  lemma PrependNone<T>(r: Parsed<seq<T>>)
    ensures Prepend([], r) == r
  {
    if r.Some? {
      assert [] + r.value.0 == r.value.0;
    }
  }

  /** The parameters up to the closing brace, appended one by one. */
  method MatchParamList(ctx: Context, kind: ParamsType) returns (params: Option<seq<Param>>)
    requires Ready(ctx)
    modifies ctx
    ensures Agrees(ctx, params, ParseParamList(kind, old(Ahead(ctx))))
    ensures params.Some? ==> ctx.lexemeType == LexemeCloseBrace
  {
    var list: seq<Param> := [];
    ghost var goal := ParseParamList(kind, Ahead(ctx));
    PrependNone(goal);
    while ctx.lexemeType != LexemeCloseBrace
      invariant Ready(ctx) && Prepend(list, ParseParamList(kind, Ahead(ctx))) == goal
      decreases Size(Ahead(ctx))
    {
      ghost var before := Ahead(ctx);
      var param := MatchParam(ctx, kind);
      if param.None? {
        return None;
      }
      PrependOne(list, param.value, ParseParamList(kind, Ahead(ctx)));
      list := list + [param.value];
    }
    assert list + [] == list;
    params := Some(list);
  }

  method MatchParams(ctx: Context, kind: ParamsType) returns (params: Option<seq<Param>>)
    requires Ready(ctx)
    modifies ctx
    ensures Agrees(ctx, params, ParseParams(kind, old(Ahead(ctx))))
  {
    var ok := MatchId(ctx, Title(kind));
    if !ok {
      return None;
    }
    ok := MatchBrace(ctx, Open);
    if !ok {
      return None;
    }
    params := MatchParamList(ctx, kind);
    if params.Some? {
      ok := MatchBrace(ctx, Close);
      if !ok {
        return None;
      }
    }
  }

  method MatchMethod(ctx: Context) returns (m: Option<Method>)
    requires Ready(ctx)
    modifies ctx
    ensures Agrees(ctx, m, ParseMethod(old(Ahead(ctx))))
  {
    var ok := MatchId(ctx, "method");
    if !ok {
      return None;
    }
    var name := MatchName(ctx);
    if name.None? {
      return None;
    }
    ok := MatchBrace(ctx, Open);
    if !ok {
      return None;
    }
    m := MatchMethodBody(ctx, name.value);
  }

  method MatchMethodBody(ctx: Context, name: string) returns (m: Option<Method>)
    requires Ready(ctx)
    modifies ctx
    ensures Agrees(ctx, m, ParseMethodBody(name, old(Ahead(ctx))))
  {
    var request := MatchParams(ctx, RequestParams);
    if request.None? {
      return None;
    }
    var response := MatchParams(ctx, ResponseParams);
    if response.None? {
      return None;
    }
    var ok := MatchBrace(ctx, Close);
    if !ok {
      return None;
    }
    m := Some(Method(name, request.value, response.value));
  }

  method MatchMethods(ctx: Context) returns (methods: Option<seq<Method>>)
    requires Ready(ctx)
    modifies ctx
    ensures Agrees(ctx, methods, ParseMethods(old(Ahead(ctx))))
  {
    ghost var goal := ParseMethods(Ahead(ctx));
    var m := MatchMethod(ctx);
    if m.None? {
      return None;
    }
    var list := [m.value];
    while TestId(ctx, "method")
      invariant Ready(ctx) && Prepend(list, ParseMoreMethods(Ahead(ctx))) == goal
      decreases Size(Ahead(ctx))
    {
      m := MatchMethod(ctx);
      if m.None? {
        return None;
      }
      PrependOne(list, m.value, ParseMoreMethods(Ahead(ctx)));
      list := list + [m.value];
    }
    assert list + [] == list;
    methods := Some(list);
  }

  method MatchInterface(ctx: Context) returns (i: Option<Interface>)
    requires ctx.Valid() && ctx.lexemeType == LexemeStart
    modifies ctx
    ensures i == ParseFile(old(ctx.Rest()))
  {
    var ok := Match(ctx, LexemeStart);
    if !ok {
      return None;
    }
    ok := MatchId(ctx, "interface");
    if !ok {
      return None;
    }
    var name := MatchName(ctx);
    if name.None? {
      return None;
    }
    ok := MatchBrace(ctx, Open);
    if !ok {
      return None;
    }
    var methods := MatchMethods(ctx);
    if methods.None? {
      return None;
    }
    ok := MatchBrace(ctx, Close);
    if !ok {
      return None;
    }
    ok := Match(ctx, LexemeStop);
    i := if ok then Some(Interface(name.value, methods.value)) else None;
  }

  /** Parses the text of a file. */
  method ParseInterface(text: string) returns (i: Option<Interface>)
    ensures i.Some? ==> InGrammar(i.value) && IsLayoutOf(text, InterfaceLexemes(i.value))
    ensures forall j :: InGrammar(j) && IsLayoutOf(text, InterfaceLexemes(j)) ==> i == Some(j)
  {
    var ctx := new Context(text);
    assert ctx.Text() == text;
    i := MatchInterface(ctx);
    forall j
      ensures i == Some(j) <==> InGrammar(j) && IsLayoutOf(text, InterfaceLexemes(j))
    {
      AcceptsExactlyLayouts(text, j);
    }
  }
}
