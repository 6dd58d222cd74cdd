/**
 * The line of a SEARCH command: arguments joined by spaces, and the reader of unquoted atoms and
 * quoted strings of section 9 of RFC 3501.
 */
module ImapWire {
  import opened Wrappers

  // ---------------------------------------------------------------------------
  // Characters
  // ---------------------------------------------------------------------------

  const QUOTE := '"'
  const BACKSLASH := '\\'

  /** CHAR: any ASCII character but NUL. */
  predicate IsChar(c: char) {
    1 <= c as int <= 127
  }

  /** TEXT-CHAR. */
  predicate IsTextChar(c: char) {
    IsChar(c) && c != '\r' && c != '\n'
  }

  /** quoted-specials. */
  predicate IsSpecial(c: char) {
    c == QUOTE || c == BACKSLASH
  }

  /** ASTRING-CHAR: no control character, no space, and none of ( ) { % * and the quoted-specials. */
  predicate IsAtomChar(c: char) {
    32 < c as int < 127 && !IsSpecial(c) && c != '(' && c != ')' && c != '{' && c != '%' && c != '*'
  }

  predicate IsAtom(s: string) {
    s != "" && forall i :: 0 <= i < |s| ==> IsAtomChar(s[i])
  }

  /** The word means itself between quotes. */
  predicate IsPlainText(s: string) {
    forall i :: 0 <= i < |s| ==> IsTextChar(s[i]) && !IsSpecial(s[i])
  }

  // ---------------------------------------------------------------------------
  // The reader
  // ---------------------------------------------------------------------------

  datatype Token = Atom(text: string) | Quoted(text: string)

  /** Behind an opening quote: the text up to the closing one, and what follows that. */
  function ReadQuoted(s: string): (r: Option<(string, string)>)
    ensures r.Some? ==> |r.value.1| < |s|
  {
    if s == "" then None
    else if s[0] == QUOTE then Some(("", s[1..]))
    else if s[0] == BACKSLASH then
      if |s| < 2 || !IsSpecial(s[1]) then None
      else
        var r := ReadQuoted(s[2..]);
        if r.None? then None else Some(([s[1]] + r.value.0, r.value.1))
    else if IsTextChar(s[0]) then
      var r := ReadQuoted(s[1..]);
      if r.None? then None else Some(([s[0]] + r.value.0, r.value.1))
    else None
  }

  function AtomLength(s: string): (n: nat)
    ensures n <= |s|
  {
    if s == "" || !IsAtomChar(s[0]) then 0 else 1 + AtomLength(s[1..])
  }

  function ReadToken(s: string): (r: Option<(Token, string)>)
    ensures r.Some? ==> |r.value.1| < |s|
  {
    if s == "" then None
    else if s[0] == QUOTE then
      var q := ReadQuoted(s[1..]);
      if q.None? then None else Some((Quoted(q.value.0), q.value.1))
    else
      var n := AtomLength(s);
      if n == 0 then None else Some((Atom(s[..n]), s[n..]))
  }

  /** Tokens with exactly one space between them. */
  function Lex(s: string): Option<seq<Token>>
    decreases |s|
  {
    var r := ReadToken(s);
    if r.None? then None
    else if r.value.1 == "" then Some([r.value.0])
    else if r.value.1[0] != ' ' then None
    else Onto(r.value.0, Lex(r.value.1[1..]))
  }

  function Onto(t: Token, more: Option<seq<Token>>): Option<seq<Token>> {
    if more.None? then None else Some([t] + more.value)
  }

  // ---------------------------------------------------------------------------
  // The writer
  // ---------------------------------------------------------------------------

  /** An argument as the encoders make it: an atom as it stands, or a word with a quote on either side. */
  datatype Arg = Plain(text: string) | Wrapped(word: string)

  function Show(a: Arg): string {
    match a
    case Plain(x) => x
    case Wrapped(w) => [QUOTE] + w + [QUOTE]
  }

  function Shown(args: seq<Arg>): (r: seq<string>)
    ensures |r| == |args|
  {
    seq(|args|, i requires 0 <= i < |args| => Show(args[i]))
  }

  /** The client library puts a space between the arguments. */
  function Join(args: seq<string>): string {
    if args == [] then "" else if |args| == 1 then args[0] else args[0] + [' '] + Join(args[1..])
  }

  /** The text a word stands for between quotes, if it can stand there at all. */
  function Unescaped(w: string): Option<string> {
    if w == "" then Some("")
    else if w[0] == QUOTE then None
    else if w[0] == BACKSLASH then
      if |w| < 2 || !IsSpecial(w[1]) then None else Before(w[1], Unescaped(w[2..]))
    else if IsTextChar(w[0]) then Before(w[0], Unescaped(w[1..]))
    else None
  }

  function Before(c: char, more: Option<string>): Option<string> {
    if more.None? then None else Some([c] + more.value)
  }

  function ReadArg(a: Arg): Option<Token> {
    match a
    case Plain(x) => Some(Atom(x))
    case Wrapped(w) => if Unescaped(w).None? then None else Some(Quoted(Unescaped(w).value))
  }

  /** What each argument reads as on its own. */
  function ReadArgs(args: seq<Arg>): Option<seq<Token>> {
    if args == [] then Some([])
    else if ReadArg(args[0]).None? then None
    else Onto(ReadArg(args[0]).value, ReadArgs(args[1..]))
  }

  // ---------------------------------------------------------------------------
  // One token
  // ---------------------------------------------------------------------------

  /** What may follow a token. */
  predicate Follows(rest: string) {
    rest == "" || rest[0] == ' '
  }

  lemma {:induction false} AtomRuns(a: string, rest: string)
    requires (forall i :: 0 <= i < |a| ==> IsAtomChar(a[i])) && Follows(rest)
    ensures AtomLength(a + rest) == |a|
  {
    if a == "" {
      assert a + rest == rest;
    } else {
      AtomRuns(a[1..], rest);
      assert (a + rest)[1..] == a[1..] + rest;
    }
  }

  lemma AtomReads(a: string, rest: string)
    requires IsAtom(a) && Follows(rest)
    ensures ReadToken(a + rest) == Some((Atom(a), rest))
  {
    AtomRuns(a, rest);
    assert (a + rest)[0] == a[0];
    assert (a + rest)[..|a|] == a && (a + rest)[|a|..] == rest;
  }

  /** A readable word, its closing quote behind it, is read to that quote. */
  lemma {:induction false} WordReads(w: string, rest: string)
    requires Unescaped(w).Some?
    ensures ReadQuoted(w + [QUOTE] + rest) == Some((Unescaped(w).value, rest))
  {
    var s := w + [QUOTE] + rest;
    if w == "" {
      assert s[1..] == rest;
    } else if w[0] == BACKSLASH {
      WordReads(w[2..], rest);
      assert s[0] == w[0] && s[1] == w[1] && s[2..] == w[2..] + [QUOTE] + rest;
    } else {
      WordReads(w[1..], rest);
      assert s[0] == w[0] && s[1..] == w[1..] + [QUOTE] + rest;
    }
  }

  /** The reader is stuck: no closing quote, or something other than a space behind it. */
  predicate Stuck(r: Option<(string, string)>) {
    r.None? || (r.value.1 != "" && r.value.1[0] != ' ')
  }

  /** Words with characters that would end or bend the string leave the reader stuck. */
  lemma {:induction false} BadWordSticks(w: string, rest: string)
    requires Unescaped(w).None? && ' ' !in w && Stuck(ReadQuoted(rest))
    ensures Stuck(ReadQuoted(w + [QUOTE] + rest))
  {
    var s := w + [QUOTE] + rest;
    assert s[0] == w[0];
    if w[0] == QUOTE {
      assert s[1] == if |w| > 1 then w[1] else QUOTE;
      assert s[1..][0] == s[1];
      assert |w| > 1 ==> w[1] in w;
    } else if w[0] == BACKSLASH {
      if |w| == 1 {
        assert s[1] == QUOTE && s[2..] == rest;
      } else if IsSpecial(w[1]) {
        assert s[1] == w[1] && s[2..] == w[2..] + [QUOTE] + rest;
        BadWordSticks(w[2..], rest);
      } else {
        assert s[1] == w[1];
      }
    } else if IsTextChar(w[0]) {
      assert s[1..] == w[1..] + [QUOTE] + rest;
      BadWordSticks(w[1..], rest);
    }
  }

  /** Without quotes and backslashes only an illegal character is in the way. */
  lemma {:induction false} IllegalTextFails(w: string, rest: string)
    requires Unescaped(w).None? && forall i :: 0 <= i < |w| ==> !IsSpecial(w[i])
    ensures ReadQuoted(w + [QUOTE] + rest).None?
  {
    var s := w + [QUOTE] + rest;
    assert s[0] == w[0];
    if IsTextChar(w[0]) {
      assert s[1..] == w[1..] + [QUOTE] + rest;
      IllegalTextFails(w[1..], rest);
    }
  }

  // ---------------------------------------------------------------------------
  // The whole line
  // ---------------------------------------------------------------------------

  /** One kind of wrapped text for all arguments: words of a split query, or text without specials. */
  datatype Kind = Words | NoSpecials

  predicate Fits(a: Arg, kind: Kind) {
    match a
    case Plain(x) => IsAtom(x)
    case Wrapped(w) => if kind == Words then w != "" && ' ' !in w else forall i :: 0 <= i < |w| ==> !IsSpecial(w[i])
  }

  predicate AllFit(args: seq<Arg>, kind: Kind) {
    forall i :: 0 <= i < |args| ==> Fits(args[i], kind)
  }

  function Tail(args: seq<Arg>): string {
    if args == [] then "" else [' '] + Join(Shown(args))
  }

  lemma JoinHead(args: seq<Arg>)
    requires args != []
    ensures Join(Shown(args)) == Show(args[0]) + Tail(args[1..])
  {
    assert Shown(args)[1..] == Shown(args[1..]);
  }

  lemma {:induction false} TextSkips(a: string, rest: string)
    requires IsPlainText(a) && Stuck(ReadQuoted(rest))
    ensures Stuck(ReadQuoted(a + rest))
  {
    if a == "" {
      assert a + rest == rest;
    } else {
      TextSkips(a[1..], rest);
      assert (a + rest)[0] == a[0] && (a + rest)[1..] == a[1..] + rest;
    }
  }

  lemma WrapShape(w: string, rest: string)
    ensures var s := Show(Wrapped(w)) + rest; s != "" && s[0] == QUOTE && s[1..] == w + [QUOTE] + rest
  {
  }

  lemma WrapSticks(w: string, rest: string)
    requires w != "" && ' ' !in w
    ensures Stuck(ReadQuoted(Show(Wrapped(w)) + rest))
  {
    WrapShape(w, rest);
    assert (w + [QUOTE] + rest)[0] == w[0];
    assert w[0] in w;
  }

  lemma SpaceSticks(s: string)
    requires Stuck(ReadQuoted(s))
    ensures Stuck(ReadQuoted([' '] + s))
  {
    assert ([' '] + s)[1..] == s;
  }

  lemma AtomSkips(a: string, rest: string)
    requires IsAtom(a) && Stuck(ReadQuoted(rest))
    ensures Stuck(ReadQuoted(a + rest))
  {
    TextSkips(a, rest);
  }

  /** A string still open between arguments is never closed properly by those that follow. */
  lemma {:induction false} TailSticks(args: seq<Arg>)
    requires AllFit(args, Words)
    ensures Stuck(ReadQuoted(Tail(args)))
  {
    if args != [] {
      JoinHead(args);
      TailSticks(args[1..]);
      HeadSticks(args[0], Tail(args[1..]));
      SpaceSticks(Show(args[0]) + Tail(args[1..]));
    }
  }

  lemma HeadSticks(a: Arg, rest: string)
    requires Fits(a, Words) && Stuck(ReadQuoted(rest))
    ensures Stuck(ReadQuoted(Show(a) + rest))
  {
    match a {
      case Plain(x) => AtomSkips(x, rest);
      case Wrapped(w) => WrapSticks(w, rest);
    }
  }

  lemma BadArgSticks(w: string, args: seq<Arg>, kind: Kind)
    requires Unescaped(w).None? && Fits(Wrapped(w), kind) && AllFit(args, kind)
    ensures Stuck(ReadQuoted(w + [QUOTE] + Tail(args)))
  {
    if kind == Words {
      TailSticks(args);
      BadWordSticks(w, Tail(args));
    } else {
      IllegalTextFails(w, Tail(args));
    }
  }

  lemma WrapReads(w: string, rest: string)
    requires Unescaped(w).Some?
    ensures ReadToken(Show(Wrapped(w)) + rest) == Some((Quoted(Unescaped(w).value), rest))
  {
    WrapShape(w, rest);
    WordReads(w, rest);
  }

  lemma ArgReads(a: Arg, rest: string, kind: Kind)
    requires Fits(a, kind) && ReadArg(a).Some? && Follows(rest)
    ensures ReadToken(Show(a) + rest) == Some((ReadArg(a).value, rest))
  {
    match a {
      case Plain(x) => AtomReads(x, rest);
      case Wrapped(w) => WrapReads(w, rest);
    }
  }

  lemma StuckFails(w: string, rest: string)
    requires Stuck(ReadQuoted(w + [QUOTE] + rest))
    ensures Lex(Show(Wrapped(w)) + rest).None?
  {
    WrapShape(w, rest);
  }

  lemma BadArgFails(a: Arg, args: seq<Arg>, kind: Kind)
    requires Fits(a, kind) && AllFit(args, kind) && ReadArg(a).None?
    ensures Lex(Show(a) + Tail(args)).None?
  {
    BadArgSticks(a.word, args, kind);
    StuckFails(a.word, Tail(args));
  }

  lemma LexLast(s: string, t: Token)
    requires ReadToken(s) == Some((t, ""))
    ensures Lex(s) == Some([t])
  {
  }

  lemma LexMore(s: string, t: Token, more: string)
    requires ReadToken(s) == Some((t, [' '] + more))
    ensures Lex(s) == Onto(t, Lex(more))
  {
    assert ([' '] + more)[1..] == more;
  }

  /** The line reads exactly as its arguments do one by one, and not at all if one of them does not. */
  lemma {:induction false} LineReads(args: seq<Arg>, kind: Kind)
    requires args != [] && AllFit(args, kind)
    ensures Lex(Join(Shown(args))) == ReadArgs(args)
  {
    var a, rest := args[0], args[1..];
    JoinHead(args);
    if ReadArg(a).None? {
      BadArgFails(a, rest, kind);
    } else {
      var t, s := ReadArg(a).value, Show(a) + Tail(rest);
      ArgReads(a, Tail(rest), kind);
      if rest == [] {
        LexLast(s, t);
        assert Onto(t, ReadArgs(rest)) == Some([t] + []) && [t] + [] == [t];
      } else {
        LexMore(s, t, Join(Shown(rest)));
        LineReads(rest, kind);
      }
    }
  }

  lemma {:induction false} ReadArgsSplit(a: seq<Arg>, b: seq<Arg>)
    ensures ReadArgs(a + b) ==
            if ReadArgs(a).None? || ReadArgs(b).None? then None else Some(ReadArgs(a).value + ReadArgs(b).value)
  {
    if a == [] {
      assert a + b == b;
      assert ReadArgs(b).Some? ==> [] + ReadArgs(b).value == ReadArgs(b).value;
    } else {
      ReadArgsSplit(a[1..], b);
      assert (a + b)[0] == a[0] && (a + b)[1..] == a[1..] + b;
      if ReadArg(a[0]).Some? && ReadArgs(a[1..]).Some? && ReadArgs(b).Some? {
        assert [ReadArg(a[0]).value] + (ReadArgs(a[1..]).value + ReadArgs(b).value) ==
               ([ReadArg(a[0]).value] + ReadArgs(a[1..]).value) + ReadArgs(b).value;
      }
    }
  }

  lemma ReadOne(a: Arg)
    ensures ReadArgs([a]) == if ReadArg(a).None? then None else Some([ReadArg(a).value])
  {
    assert [a][1..] == [];
    if ReadArg(a).Some? {
      assert [ReadArg(a).value] + [] == [ReadArg(a).value];
    }
  }

  lemma ReadTwo(a: Arg, b: Arg)
    ensures ReadArgs([a, b]) == if ReadArg(a).None? || ReadArg(b).None? then None else Some([ReadArg(a).value, ReadArg(b).value])
  {
    ReadOne(a);
    ReadOne(b);
    ReadArgsSplit([a], [b]);
    assert [a] + [b] == [a, b];
    if ReadArg(a).Some? && ReadArg(b).Some? {
      assert [ReadArg(a).value] + [ReadArg(b).value] == [ReadArg(a).value, ReadArg(b).value];
    }
  }

  lemma ReadThree(a: Arg, b: Arg, c: Arg)
    ensures ReadArgs([a, b, c]) ==
            if ReadArg(a).None? || ReadArg(b).None? || ReadArg(c).None? then None
            else Some([ReadArg(a).value, ReadArg(b).value, ReadArg(c).value])
  {
    ReadTwo(a, b);
    ReadOne(c);
    ReadArgsSplit([a, b], [c]);
    assert [a, b] + [c] == [a, b, c];
    if ReadArg(a).Some? && ReadArg(b).Some? && ReadArg(c).Some? {
      assert [ReadArg(a).value, ReadArg(b).value] + [ReadArg(c).value] == [ReadArg(a).value, ReadArg(b).value, ReadArg(c).value];
    }
  }

  lemma ReadFour(a: seq<Arg>, b: seq<Arg>, c: seq<Arg>, d: seq<Arg>)
    requires ReadArgs(b).Some? && ReadArgs(c).Some? && ReadArgs(d).Some?
    ensures ReadArgs(a + b + c + d) ==
            if ReadArgs(a).None? then None
            else Some(ReadArgs(a).value + (ReadArgs(b).value + (ReadArgs(c).value + ReadArgs(d).value)))
  {
    Regroup(a, b, c, d);
    ReadArgsSplit(c, d);
    ReadArgsSplit(b, c + d);
    ReadArgsSplit(a, b + (c + d));
  }

  lemma Regroup(a: seq<Arg>, b: seq<Arg>, c: seq<Arg>, d: seq<Arg>)
    ensures a + b + c + d == a + (b + (c + d))
  {
  }

  lemma FitSplits(a: seq<Arg>, b: seq<Arg>, kind: Kind)
    ensures AllFit(a + b, kind) <==> AllFit(a, kind) && AllFit(b, kind)
  {
    assert forall i :: 0 <= i < |a| ==> (a + b)[i] == a[i];
    assert forall i :: 0 <= i < |b| ==> (a + b)[|a| + i] == b[i];
  }

  lemma ShownSplit(a: seq<Arg>, b: seq<Arg>)
    ensures Shown(a + b) == Shown(a) + Shown(b)
  {
  }

  // ---------------------------------------------------------------------------
  // Which words mean themselves
  // ---------------------------------------------------------------------------

  predicate HasSpecial(s: string) {
    exists i :: 0 <= i < |s| && IsSpecial(s[i])
  }

  /** A readable word stands for itself, unless a backslash makes it stand for something shorter. */
  lemma {:induction false} UnescapedText(w: string)
    requires Unescaped(w).Some?
    ensures HasSpecial(w) ==> |Unescaped(w).value| < |w|
    ensures !HasSpecial(w) ==> Unescaped(w).value == w && IsPlainText(w)
  {
    if w != "" && w[0] == BACKSLASH {
      UnescapedText(w[2..]);
      assert IsSpecial(w[0]);
      if !HasSpecial(w[2..]) {
        assert |Unescaped(w[2..]).value| == |w| - 2;
      }
    } else if w != "" {
      UnescapedText(w[1..]);
      assert w == [w[0]] + w[1..];
      if HasSpecial(w[1..]) {
        var i :| 0 <= i < |w[1..]| && IsSpecial(w[1..][i]);
        assert IsSpecial(w[i + 1]);
      }
      if HasSpecial(w) {
        var i :| 0 <= i < |w| && IsSpecial(w[i]);
        assert IsSpecial(w[1..][i - 1]);
      }
    }
  }

  lemma {:induction false} PlainTextReads(w: string)
    requires IsPlainText(w)
    ensures Unescaped(w) == Some(w)
  {
    if w != "" {
      PlainTextReads(w[1..]);
      assert w == [w[0]] + w[1..];
    }
  }
}
