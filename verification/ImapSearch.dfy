/**
 * The two encoders of IMAP SEARCH criteria (routers/ui_restore.py and routers/restore.py). Their
 * arguments go out as one line, which is read back here, character by character and key by key,
 * as sections 6.4.4 and 9 of RFC 3501 say, and evaluated.
 */
module ImapSearch {
  import opened Decimal
  import opened ImapWire
  import opened Wrappers

  // ---------------------------------------------------------------------------
  // Dates
  // ---------------------------------------------------------------------------

  datatype Day = Day(year: nat, month: nat, day: nat)

  type Date = d: Day | 1 <= d.month <= 12 witness Day(2000, 1, 1)

  /** What `datetime.strptime` can return. */
  type Calendar = d: Day | 1 <= d.year <= 9999 && 1 <= d.month <= 12 && 1 <= d.day <= 31 witness Day(2000, 1, 1)

  function MonthName(m: nat): (s: string)
    requires 1 <= m <= 12
    ensures |s| == 3
  {
    if m == 1 then "Jan" else if m == 2 then "Feb" else if m == 3 then "Mar" else if m == 4 then "Apr"
    else if m == 5 then "May" else if m == 6 then "Jun" else if m == 7 then "Jul" else if m == 8 then "Aug"
    else if m == 9 then "Sep" else if m == 10 then "Oct" else if m == 11 then "Nov" else "Dec"
  }

  /** `_to_imap_date`, after the ISO date has been read. */
  function ToImapDate(d: Date): string {
    Dec(d.day) + "-" + MonthName(d.month) + "-" + Dec(d.year)
  }

  ghost function MonthNumber(s: string): (m: Option<nat>)
    ensures m.Some? ==> 1 <= m.value <= 12
  {
    if m :| 1 <= m <= 12 && MonthName(m) == s then Some(m) else None
  }

  /** date-text of RFC 3501, section 9: one or two digits, a month, exactly four digits. */
  ghost function ReadDate(s: string): Option<Date> {
    if |s| >= 2 && s[1] == '-' then ReadMonth(s, 1)
    else if |s| >= 3 && s[2] == '-' then ReadMonth(s, 2)
    else None
  }

  ghost function ReadMonth(s: string, i: nat): Option<Date> {
    if |s| == i + 9 && AllDigits(s[..i]) && s[i + 4] == '-' && AllDigits(s[i + 5..]) && MonthNumber(s[i + 1..i + 4]).Some?
    then Some(Day(Value(s[i + 5..]), MonthNumber(s[i + 1..i + 4]).value, Value(s[..i])))
    else None
  }

  ghost predicate Expressible(d: Date) {
    d.day <= 99 && 1000 <= d.year <= 9999
  }

  lemma MonthNamesDiffer(m: nat, n: nat)
    requires 1 <= m <= 12 && 1 <= n <= 12 && MonthName(m) == MonthName(n)
    ensures m == n
  {
  }

  lemma MonthReads(m: nat)
    requires 1 <= m <= 12
    ensures MonthNumber(MonthName(m)) == Some(m)
  {
    MonthNamesDiffer(m, MonthNumber(MonthName(m)).value);
  }

  const MONTHS := "JanFebMarAprMayJunJulAugSepOctNovDec"

  lemma EarlyMonth(m: nat)
    requires 1 <= m <= 4
    ensures MonthName(m) == MONTHS[3 * (m - 1)..3 * m]
  {
    var k := 3 * (m - 1);
    assert MonthName(m)[0] == MONTHS[k] && MonthName(m)[1] == MONTHS[k + 1] && MonthName(m)[2] == MONTHS[k + 2];
  }

  lemma MiddleMonth(m: nat)
    requires 5 <= m <= 8
    ensures MonthName(m) == MONTHS[3 * (m - 1)..3 * m]
  {
    var k := 3 * (m - 1);
    assert MonthName(m)[0] == MONTHS[k] && MonthName(m)[1] == MONTHS[k + 1] && MonthName(m)[2] == MONTHS[k + 2];
  }

  lemma LateMonth(m: nat)
    requires 9 <= m <= 12
    ensures MonthName(m) == MONTHS[3 * (m - 1)..3 * m]
  {
    var k := 3 * (m - 1);
    assert MonthName(m)[0] == MONTHS[k] && MonthName(m)[1] == MONTHS[k + 1] && MonthName(m)[2] == MONTHS[k + 2];
  }

  /** The names of the months, in order. */
  lemma MonthsInOrder(m: nat)
    requires 1 <= m <= 12
    ensures MonthName(m) == MONTHS[3 * (m - 1)..3 * m]
  {
    if m <= 4 {
      EarlyMonth(m);
    } else if m <= 8 {
      MiddleMonth(m);
    } else {
      LateMonth(m);
    }
  }

  lemma Lengths(n: nat)
    ensures 1 <= |Dec(n)| && (|Dec(n)| <= 2 <==> n <= 99) && (|Dec(n)| == 4 <==> 1000 <= n <= 9999)
  {
    DecLength(n, 2);
    DecLength(n, 3);
    DecLength(n, 4);
    assert Power(1) == 10 && Power(2) == 100 && Power(3) == 1000 && Power(4) == 10000;
  }

  lemma Pieces(a: string, m: string, y: string)
    requires |m| == 3
    ensures var s := a + "-" + m + "-" + y; var i := |a|;
            |s| == i + 5 + |y| && s[..i] == a && s[i] == '-' && s[i + 4] == '-' && s[i + 1..i + 4] == m && s[i + 5..] == y
  {
  }

  /** A rendered date is a date of the protocol, and the same one, exactly when it is expressible there. */
  lemma DateReads(d: Date)
    ensures ReadDate(ToImapDate(d)) == if Expressible(d) then Some(d) else None
  {
    var s, i := ToImapDate(d), |Dec(d.day)|;
    Pieces(Dec(d.day), MonthName(d.month), Dec(d.year));
    Lengths(d.day);
    Lengths(d.year);
    MonthReads(d.month);
    ValueOfDec(d.day);
    ValueOfDec(d.year);
    forall j | 0 <= j < i ensures s[j] != '-' {
      assert s[j] == Dec(d.day)[j];
    }
  }

  // ---------------------------------------------------------------------------
  // Search keys: grammar and meaning
  // ---------------------------------------------------------------------------

  datatype FlagKey = ALL | ANSWERED | DELETED | FLAGGED | SEEN | UNANSWERED | UNDELETED | UNFLAGGED | UNSEEN
  datatype Section = BCC | BODY | CC | FROM | SUBJECT | TEXT | TO
  datatype DateKey = BEFORE | ON | SINCE
  datatype Keyword = FlagWord(flag: FlagKey) | SectionWord(section: Section) | DateWord(rel: DateKey) | HEADER | NOT | OR

  function FlagName(f: FlagKey): string {
    match f
    case ALL => "ALL"
    case ANSWERED => "ANSWERED"
    case DELETED => "DELETED"
    case FLAGGED => "FLAGGED"
    case SEEN => "SEEN"
    case UNANSWERED => "UNANSWERED"
    case UNDELETED => "UNDELETED"
    case UNFLAGGED => "UNFLAGGED"
    case UNSEEN => "UNSEEN"
  }

  function SectionName(s: Section): string {
    match s
    case BCC => "BCC"
    case BODY => "BODY"
    case CC => "CC"
    case FROM => "FROM"
    case SUBJECT => "SUBJECT"
    case TEXT => "TEXT"
    case TO => "TO"
  }

  function UpperChar(c: char): char {
    if 'a' <= c <= 'z' then c - 'a' + 'A' else if c == '_' then '-' else c
  }

  /** In capitals, with a hyphen for an underscore. */
  function Upper(s: string): (u: string)
    ensures |u| == |s| && forall i :: 0 <= i < |s| ==> u[i] == UpperChar(s[i])
  {
    seq(|s|, i requires 0 <= i < |s| => UpperChar(s[i]))
  }

  function DateName(d: DateKey): string {
    match d
    case BEFORE => "BEFORE"
    case ON => "ON"
    case SINCE => "SINCE"
  }

  function Name(k: Keyword): string {
    match k
    case FlagWord(f) => FlagName(f)
    case SectionWord(s) => SectionName(s)
    case DateWord(d) => DateName(d)
    case HEADER => "HEADER"
    case NOT => "NOT"
    case OR => "OR"
  }

  ghost function KeywordOf(s: string): Option<Keyword> {
    if k :| Name(k) == s then Some(k) else None
  }

  lemma NamesDiffer(j: Keyword, k: Keyword)
    requires Name(j) == Name(k)
    ensures j == k
  {
  }

  lemma FlagIsAtom(f: FlagKey)
    ensures IsAtom(FlagName(f))
  {
  }

  lemma SectionIsAtom(s: Section)
    ensures IsAtom(SectionName(s))
  {
  }

  lemma NameIsAtom(k: Keyword)
    ensures IsAtom(Name(k))
  {
    match k {
      case FlagWord(f) => FlagIsAtom(f);
      case SectionWord(s) => SectionIsAtom(s);
      case _ =>
    }
  }

  lemma NameReads(k: Keyword)
    ensures KeywordOf(Name(k)) == Some(k)
  {
    NamesDiffer(k, KeywordOf(Name(k)).value);
  }

  /** What a single criterion asks of a message. */
  datatype Crit =
    | Flag(flag: FlagKey)
    | Contains(section: Section, text: string)
    | HasHeader(name: string, text: string)
    | Dated(rel: DateKey, date: Date)

  datatype Key = Leaf(crit: Crit) | Not(key: Key) | Or(left: Key, right: Key)

  /** Reads one search key off the front: a keyword is never quoted, its arguments may be. */
  ghost function ParseKey(ts: seq<Token>): (r: Option<(Key, seq<Token>)>)
    ensures r.Some? ==> |r.value.1| < |ts|
    decreases |ts|
  {
    if ts == [] || !ts[0].Atom? || KeywordOf(ts[0].text).None? then None
    else
      match KeywordOf(ts[0].text).value
      case FlagWord(f) => Some((Leaf(Flag(f)), ts[1..]))
      case SectionWord(s) => if |ts| < 2 then None else Some((Leaf(Contains(s, ts[1].text)), ts[2..]))
      case HEADER => if |ts| < 3 then None else Some((Leaf(HasHeader(ts[1].text, ts[2].text)), ts[3..]))
      case DateWord(d) =>
        if |ts| < 2 || ReadDate(ts[1].text).None? then None
        else Some((Leaf(Dated(d, ReadDate(ts[1].text).value)), ts[2..]))
      case NOT =>
        var a := ParseKey(ts[1..]);
        if a.None? then None else Some((Not(a.value.0), a.value.1))
      case OR =>
        var a := ParseKey(ts[1..]);
        if a.None? then None
        else
          var b := ParseKey(a.value.1);
          if b.None? then None else Some((Or(a.value.0, b.value.0), b.value.1))
  }

  ghost function ParseKeys(ts: seq<Token>): Option<seq<Key>>
    decreases |ts|
  {
    if ts == [] then Some([])
    else
      var k := ParseKey(ts);
      if k.None? then None
      else
        var ks := ParseKeys(k.value.1);
        if ks.None? then None else Some([k.value.0] + ks.value)
  }

  /** The line of arguments: its tokens make up search keys, nothing left over. */
  ghost function Read(line: string): Option<seq<Key>> {
    if Lex(line).None? then None else ParseKeys(Lex(line).value)
  }

  /** Which criteria hold of a message. */
  type Truth = Crit -> bool

  ghost predicate Holds(t: Truth, k: Key) {
    match k
    case Leaf(c) => c == Flag(ALL) || t(c)
    case Not(a) => !Holds(t, a)
    case Or(a, b) => Holds(t, a) || Holds(t, b)
  }

  ghost predicate HoldAll(t: Truth, ks: seq<Key>) {
    forall i :: 0 <= i < |ks| ==> Holds(t, ks[i])
  }

  lemma HoldAllSplits(t: Truth, a: seq<Key>, b: seq<Key>)
    ensures HoldAll(t, a + b) <==> HoldAll(t, a) && HoldAll(t, b)
  {
    assert forall i :: 0 <= i < |a| ==> (a + b)[i] == a[i];
    assert forall i :: 0 <= i < |b| ==> (a + b)[|a| + i] == b[i];
  }

  lemma HoldOne(t: Truth, k: Key)
    ensures HoldAll(t, [k]) <==> Holds(t, k)
  {
    assert [k][0] == k;
  }

  // ---------------------------------------------------------------------------
  // The grammar is prefix-free
  // ---------------------------------------------------------------------------

  ghost predicate Readable(k: Key) {
    match k
    case Leaf(c) => c.Dated? ==> Expressible(c.date)
    case Not(a) => Readable(a)
    case Or(a, b) => Readable(a) && Readable(b)
  }

  ghost predicate AllReadable(ks: seq<Key>) {
    forall i :: 0 <= i < |ks| ==> Readable(ks[i])
  }

  function Word(k: Keyword): Token {
    Atom(Name(k))
  }

  /** The tokens of a key. */
  function Tokens(k: Key): (ts: seq<Token>)
    ensures ts != []
  {
    match k
    case Leaf(Flag(f)) => [Word(FlagWord(f))]
    case Leaf(Contains(s, x)) => [Word(SectionWord(s)), Quoted(x)]
    case Leaf(HasHeader(n, x)) => [Word(HEADER), Atom(n), Quoted(x)]
    case Leaf(Dated(d, x)) => [Word(DateWord(d)), Atom(ToImapDate(x))]
    case Not(a) => [Word(NOT)] + Tokens(a)
    case Or(a, b) => [Word(OR)] + Tokens(a) + Tokens(b)
  }

  ghost function TokensAll(ks: seq<Key>): seq<Token> {
    if ks == [] then [] else TokensAll(ks[..|ks| - 1]) + Tokens(ks[|ks| - 1])
  }

  lemma LeafReads(c: Crit, rest: seq<Token>)
    ensures ParseKey(Tokens(Leaf(c)) + rest) == if Readable(Leaf(c)) then Some((Leaf(c), rest)) else None
  {
    match c {
      case Flag(f) => NameReads(FlagWord(f));
      case Contains(s, _) => NameReads(SectionWord(s));
      case HasHeader(_, _) => NameReads(HEADER);
      case Dated(d, x) =>
        NameReads(DateWord(d));
        DateReads(x);
    }
  }

  lemma NotParses(ts: seq<Token>)
    ensures ParseKey([Word(NOT)] + ts) == (var a := ParseKey(ts); if a.None? then None else Some((Not(a.value.0), a.value.1)))
  {
    NameReads(NOT);
    assert ([Word(NOT)] + ts)[1..] == ts;
  }

  lemma OrParses(ts: seq<Token>, a: Key, rest: seq<Token>)
    requires ParseKey(ts) == Some((a, rest))
    ensures ParseKey([Word(OR)] + ts) == (var b := ParseKey(rest); if b.None? then None else Some((Or(a, b.value.0), b.value.1)))
  {
    NameReads(OR);
    assert ([Word(OR)] + ts)[1..] == ts;
  }

  lemma OrFails(ts: seq<Token>)
    requires ParseKey(ts).None?
    ensures ParseKey([Word(OR)] + ts).None?
  {
    NameReads(OR);
    assert ([Word(OR)] + ts)[1..] == ts;
  }

  lemma TokensOfOr(a: Key, b: Key, rest: seq<Token>)
    ensures Tokens(Or(a, b)) + rest == [Word(OR)] + (Tokens(a) + (Tokens(b) + rest))
  {
  }

  lemma TokensOfNot(a: Key, rest: seq<Token>)
    ensures Tokens(Not(a)) + rest == [Word(NOT)] + (Tokens(a) + rest)
  {
  }

  /** The tokens of a key read back as that key, and nothing after them is touched. */
  lemma {:induction false} KeyReads(k: Key, rest: seq<Token>)
    ensures ParseKey(Tokens(k) + rest) == if Readable(k) then Some((k, rest)) else None
  {
    match k {
      case Leaf(c) => LeafReads(c, rest);
      case Not(a) =>
        KeyReads(a, rest);
        TokensOfNot(a, rest);
        NotParses(Tokens(a) + rest);
      case Or(a, b) =>
        KeyReads(a, Tokens(b) + rest);
        KeyReads(b, rest);
        TokensOfOr(a, b, rest);
        if Readable(a) {
          OrParses(Tokens(a) + (Tokens(b) + rest), a, Tokens(b) + rest);
        } else {
          OrFails(Tokens(a) + (Tokens(b) + rest));
        }
    }
  }

  ghost function Prepend(ks: seq<Key>, more: Option<seq<Key>>): Option<seq<Key>> {
    if more.None? then None else Some(ks + more.value)
  }

  lemma KeysParse(ts: seq<Token>, k: Key, rest: seq<Token>)
    requires ParseKey(ts) == Some((k, rest))
    ensures ParseKeys(ts) == Prepend([k], ParseKeys(rest))
  {
  }

  lemma KeysFail(ts: seq<Token>)
    requires ts != [] && ParseKey(ts).None?
    ensures ParseKeys(ts).None?
  {
  }

  lemma PrependAll(ks: seq<Key>, k: Key, more: Option<seq<Key>>)
    ensures Prepend(ks, Prepend([k], more)) == Prepend(ks + [k], more)
    ensures Prepend([], more) == more
  {
    if more.Some? {
      assert ks + ([k] + more.value) == ks + [k] + more.value;
      assert [] + more.value == more.value;
    }
  }

  lemma ReadableSplits(ks: seq<Key>, k: Key)
    ensures AllReadable(ks + [k]) <==> AllReadable(ks) && Readable(k)
  {
    assert (ks + [k])[|ks|] == k;
    assert forall i :: 0 <= i < |ks| ==> (ks + [k])[i] == ks[i];
  }

  lemma TokensSplit(ks: seq<Key>, k: Key, rest: seq<Token>)
    ensures TokensAll(ks + [k]) + rest == TokensAll(ks) + (Tokens(k) + rest)
  {
    assert (ks + [k])[..|ks|] == ks;
  }

  lemma {:induction false} KeysRead(ks: seq<Key>, rest: seq<Token>)
    ensures ParseKeys(TokensAll(ks) + rest) == if AllReadable(ks) then Prepend(ks, ParseKeys(rest)) else None
  {
    if ks == [] {
      assert TokensAll(ks) + rest == rest;
      PrependAll([], Leaf(Flag(ALL)), ParseKeys(rest));
    } else {
      var init, last := ks[..|ks| - 1], ks[|ks| - 1];
      assert ks == init + [last];
      var ts := Tokens(last) + rest;
      KeysRead(init, ts);
      TokensSplit(init, last, rest);
      ReadableSplits(init, last);
      KeyReads(last, rest);
      if Readable(last) {
        KeysParse(ts, last, rest);
      } else {
        KeysFail(ts);
      }
      PrependAll(init, last, ParseKeys(rest));
    }
  }

  // ---------------------------------------------------------------------------
  // Two ways to OR a list of fields
  // ---------------------------------------------------------------------------

  /** A value of `_FIELD_MAP`. */
  datatype Field = In(section: Section) | InHeader(name: string)

  function Test(f: Field, word: string): Crit {
    match f
    case In(s) => Contains(s, word)
    case InHeader(n) => HasHeader(n, word)
  }

  function RightNest(fields: seq<Field>, word: string): Key
    requires fields != []
  {
    if |fields| == 1 then Leaf(Test(fields[0], word))
    else Or(Leaf(Test(fields[0], word)), RightNest(fields[1..], word))
  }

  function LeftNest(fields: seq<Field>, word: string): Key
    requires fields != []
  {
    if |fields| == 1 then Leaf(Test(fields[0], word))
    else Or(LeftNest(fields[..|fields| - 1], word), Leaf(Test(fields[|fields| - 1], word)))
  }

  /** Some field of the message contains the word. */
  ghost predicate AnyField(t: Truth, fields: seq<Field>, word: string) {
    exists i :: 0 <= i < |fields| && t(Test(fields[i], word))
  }

  lemma TestIsNotAll(f: Field, word: string)
    ensures Test(f, word) != Flag(ALL)
  {
  }

  lemma {:induction false} RightNestMeans(t: Truth, fields: seq<Field>, word: string)
    requires fields != []
    ensures Holds(t, RightNest(fields, word)) <==> AnyField(t, fields, word)
  {
    TestIsNotAll(fields[0], word);
    if |fields| > 1 {
      var rest := fields[1..];
      RightNestMeans(t, rest, word);
      assert forall i :: 0 <= i < |rest| ==> rest[i] == fields[i + 1];
      if AnyField(t, fields, word) && !t(Test(fields[0], word)) {
        var i :| 0 <= i < |fields| && t(Test(fields[i], word));
        assert t(Test(rest[i - 1], word));
      }
    }
  }

  lemma {:induction false} LeftNestMeans(t: Truth, fields: seq<Field>, word: string)
    requires fields != []
    ensures Holds(t, LeftNest(fields, word)) <==> AnyField(t, fields, word)
  {
    var n := |fields| - 1;
    TestIsNotAll(fields[n], word);
    if n > 0 {
      var init := fields[..n];
      LeftNestMeans(t, init, word);
      if AnyField(t, fields, word) && !t(Test(fields[n], word)) {
        var i :| 0 <= i < |fields| && t(Test(fields[i], word));
        assert t(Test(init[i], word));
      }
      if AnyField(t, init, word) {
        var i :| 0 <= i < |init| && t(Test(init[i], word));
        assert t(Test(fields[i], word));
      }
    }
  }

  /** The run of `OR` tokens and the nested groups ask for the same messages. */
  lemma NestsAgree(t: Truth, fields: seq<Field>, word: string)
    requires fields != []
    ensures Holds(t, LeftNest(fields, word)) <==> Holds(t, RightNest(fields, word))
  {
    RightNestMeans(t, fields, word);
    LeftNestMeans(t, fields, word);
  }

  lemma {:induction false} NestsReadable(fields: seq<Field>, word: string)
    requires fields != []
    ensures Readable(RightNest(fields, word)) && Readable(LeftNest(fields, word))
  {
    if |fields| > 1 {
      NestsReadable(fields[1..], word);
      NestsReadable(fields[..|fields| - 1], word);
    }
  }

  lemma TokensOne(k: Key)
    ensures TokensAll([k]) == Tokens(k)
  {
    assert [k][..0] == [];
  }

  // ---------------------------------------------------------------------------
  // The nested group on the line
  // ---------------------------------------------------------------------------

  function FieldArgs(f: Field, word: string): seq<Arg> {
    match f
    case In(s) => [Plain(SectionName(s)), Wrapped(word)]
    case InHeader(n) => [Plain("HEADER"), Plain(n), Wrapped(word)]
  }

  function GroupArgs(fields: seq<Field>, word: string): seq<Arg>
    requires fields != []
  {
    if |fields| == 1 then FieldArgs(fields[0], word)
    else [Plain("OR")] + FieldArgs(fields[0], word) + GroupArgs(fields[1..], word)
  }

  lemma FieldReads(f: Field, word: string)
    ensures ReadArgs(FieldArgs(f, word)) ==
            if Unescaped(word).None? then None else Some(Tokens(Leaf(Test(f, Unescaped(word).value))))
  {
    match f {
      case In(s) => ReadTwo(Plain(SectionName(s)), Wrapped(word));
      case InHeader(n) => ReadThree(Plain("HEADER"), Plain(n), Wrapped(word));
    }
  }

  /** The group reads as the right-nested OR for the text the word stands for. */
  lemma {:induction false} GroupReads(fields: seq<Field>, word: string)
    requires fields != []
    ensures ReadArgs(GroupArgs(fields, word)) ==
            if Unescaped(word).None? then None else Some(Tokens(RightNest(fields, Unescaped(word).value)))
  {
    FieldReads(fields[0], word);
    if |fields| > 1 {
      GroupReads(fields[1..], word);
      ReadOne(Plain("OR"));
      ReadArgsSplit([Plain("OR")], FieldArgs(fields[0], word));
      ReadArgsSplit([Plain("OR")] + FieldArgs(fields[0], word), GroupArgs(fields[1..], word));
    }
  }

  lemma {:induction false} GroupFits(fields: seq<Field>, word: string, kind: Kind)
    requires fields != [] && Fits(Wrapped(word), kind)
    requires forall i :: 0 <= i < |fields| ==> fields[i].InHeader? ==> IsAtom(fields[i].name)
    ensures AllFit(GroupArgs(fields, word), kind)
  {
    FieldFits(fields[0], word, kind);
    if |fields| > 1 {
      GroupFits(fields[1..], word, kind);
      NameIsAtom(OR);
      FitSplits([Plain("OR")], FieldArgs(fields[0], word), kind);
      FitSplits([Plain("OR")] + FieldArgs(fields[0], word), GroupArgs(fields[1..], word), kind);
    }
  }

  lemma FieldFits(f: Field, word: string, kind: Kind)
    requires Fits(Wrapped(word), kind) && (f.InHeader? ==> IsAtom(f.name))
    ensures AllFit(FieldArgs(f, word), kind)
  {
    match f {
      case In(s) => SectionIsAtom(s);
      case InHeader(_) => NameIsAtom(HEADER);
    }
  }
}
